/** `download_video_list`: every record of an export list goes through three
    pluggable steps (select, extract the URL, extract and parse the date)
    and, if all succeed, a single-video download. A failing step skips that
    record only. The progress events are modelled as a sequence of tagged
    values ending with one summary. */
module Pipeline {
  import opened Values
  import opened PosixPath
  import opened Dates
  import opened Sessions
  import opened SingleDownload

  /** The arguments that describe one list: its description, the output
      folder, and the three steps, each of which may raise. */
  datatype Batch = Batch(
    description: string,
    folder: Path,
    filterFn: Json -> Result<bool>,
    urlExtractor: Json -> Result<Json>,
    dateStringExtractor: Json -> Result<Json>)

  /** One progress message. `ordinal` is the value of `total` when the
      message is produced and `listLength` the length of the list; the
      percentage in the message text is computed from these two. */
  datatype Event =
    | FilterFailed(record: Json)
    | UrlExtractorFailed(record: Json)
    | DateExtractorFailed(record: Json)
    | Downloaded(url: Json, date: DateTime, ordinal: nat, listLength: nat, description: string)
    | DownloadFailed(url: Json, date: DateTime, ordinal: nat, listLength: nat, description: string)
    | Summary(success: nat, total: nat, description: string)

  /** A date parser: `datetime.strptime(_, "%Y-%m-%d %H:%M:%S")` when the
      downloader runs, `None` where it raises. */
  type Parser = string -> Option<DateTime>

  /** The date step: the extractor's value must be a string the parser
      accepts. */
  function ParseExtracted(parse: Parser, v: Result<Json>): (r: Result<DateTime>)
    ensures r.Ok? <==> v.Ok? && v.value.JStr? && parse(v.value.s).Some?
    ensures r.Ok? ==> r.value == parse(v.value.s).value
    ensures r.Fail? && v.Fail? ==> r.error == v.error
  {
    match v
    case Fail(e) => Fail(e)
    case Ok(JStr(t)) => (match parse(t) case Some(dt) => Ok(dt) case None => Fail(DateFormatError))
    case Ok(_) => Fail(TypeError)
  }

  /** The loop's variables after some records: the downloader's state, the
      two counters, and the events produced so far. */
  datatype Progress = Progress(session: Session, total: nat, success: nat, events: seq<Event>)

  /** The single-video download the loop calls for a record that got past
      the three steps: from a state, the URL, the parsed date and the list's
      folder to the new state and the outcome. The lemmas below hold for any
      such function; `SingleVideo` is the one the downloader uses. */
  type Download = (Session, Json, DateTime, Path) -> (Session, Result<()>)

  /** What the loop calls on each record: the date parser and the
      single-video download. */
  datatype Services = Services(parse: Parser, download: Download)

  /** `self.download_single_video`. The loop passes only dates the parser
      accepted, which are valid, so the second branch is never taken there. */
  function SingleVideo(env: Env): Download {
    (s: Session, url: Json, date: DateTime, folder: Path) =>
      if Valid(date) then DownloadSpec(s, env, url, date, folder) else (s, Fail(DateFormatError))
  }

  /** A download that never opens or closes the scope, keeps the cache
      trimmed, and outside a scope fails without changing anything. */
  ghost predicate Scoped(dl: Download) {
    forall s: Session, url: Json, date: DateTime, folder: Path ::
      && dl(s, url, date, folder).0.tempdir == s.tempdir
      && (CacheTrimmed(s) ==> CacheTrimmed(dl(s, url, date, folder).0))
      && (s.tempdir.None? ==> dl(s, url, date, folder).0 == s && dl(s, url, date, folder).1.Fail?)
  }

  /** `download_single_video` is scoped. */
  lemma SingleVideoScoped(env: Env)
    ensures Scoped(SingleVideo(env))
  {
  }

  /** The cache entry of `u` is non-empty: `__download_video` answers `u`
      from the cache. */
  ghost predicate Cached(s: Session, u: string) {
    u in s.downloaded && s.downloaded[u] != map[]
  }

  /** From `s` to `s'`, the non-empty entry of `u` stayed as it was, the
      fetch log only grew, and the fetcher was not asked for `u`. */
  ghost predicate KeptCached(s: Session, s': Session, u: string) {
    && u in s.downloaded && u in s'.downloaded && s'.downloaded[u] == s.downloaded[u]
    && s.fetchLog <= s'.fetchLog
    && u !in s'.fetchLog[|s.fetchLog|..]
  }

  /** A download that keeps every non-empty cache entry and never fetches a
      URL whose entry is non-empty. */
  ghost predicate KeepsCache(dl: Download) {
    forall s: Session, url: Json, date: DateTime, folder: Path, u: string ::
      Cached(s, u) ==> KeptCached(s, dl(s, url, date, folder).0, u)
  }

  /** `download_single_video` keeps the cache. */
  lemma SingleVideoKeepsCache(env: Env)
    ensures KeepsCache(SingleVideo(env))
  {
    forall s: Session, url: Json, date: DateTime, folder: Path, u: string | Cached(s, u)
      ensures KeptCached(s, SingleVideo(env)(s, url, date, folder).0, u)
    {
      if Valid(date) {
        DownloadKeepsCached(s, env, url, date, folder, u);
      } else {
        assert s.fetchLog[|s.fetchLog|..] == [];
      }
    }
  }

  /** The services the downloader uses. */
  function Actual(env: Env): Services {
    Services(ParseDate, SingleVideo(env))
  }

  /** On the dates the parser accepts, which are valid, the download the
      loop calls is `download_single_video`. */
  lemma ActualDownload(env: Env, s: Session, url: Json, date: DateTime, folder: Path)
    requires Valid(date)
    ensures Actual(env).download(s, url, date, folder) == DownloadSpec(s, env, url, date, folder)
  {
  }

  /** The filter accepted the record without raising. */
  predicate Selected(b: Batch, data: Json) {
    b.filterFn(data) == Ok(true)
  }

  /** The filter rejected the record without raising: it leaves no trace. */
  predicate Declined(b: Batch, data: Json) {
    b.filterFn(data) == Ok(false)
  }

  /** The record got past all three steps and reaches the download. */
  predicate Reaches(parse: Parser, b: Batch, data: Json) {
    && Selected(b, data)
    && b.urlExtractor(data).Ok?
    && ParseExtracted(parse, b.dateStringExtractor(data)).Ok?
  }

  /** One iteration of the loop over a list of length `n`. */
  function Step(sv: Services, b: Batch, n: nat, p: Progress, data: Json): Progress {
    match b.filterFn(data)
    case Fail(_) => p.(events := p.events + [FilterFailed(data)])
    case Ok(keep) =>
      if !keep then p
      else
        var total := p.total + 1;
        match b.urlExtractor(data)
        case Fail(_) => p.(total := total, events := p.events + [UrlExtractorFailed(data)])
        case Ok(url) =>
          match ParseExtracted(sv.parse, b.dateStringExtractor(data))
          case Fail(_) => p.(total := total, events := p.events + [DateExtractorFailed(data)])
          case Ok(date) => Attempt(sv, b, n, p.(total := total), url, date)
  }

  /** The download of a record that got past the three steps, and the event
      reporting it; `p.total` already counts the record. */
  function Attempt(sv: Services, b: Batch, n: nat, p: Progress, url: Json, date: DateTime): Progress {
    var d := sv.download(p.session, url, date, b.folder);
    if d.1.Ok? then
      Progress(d.0, p.total, p.success + 1, p.events + [Downloaded(url, date, p.total, n, b.description)])
    else
      Progress(d.0, p.total, p.success, p.events + [DownloadFailed(url, date, p.total, n, b.description)])
  }

  /** The event and counters a download with a known outcome leaves. This
      restates `Attempt` for a given outcome, so that callers can use it
      without unfolding the download; it states no property of its own. */
  lemma AttemptOutcome(sv: Services, b: Batch, n: nat, p: Progress, url: Json, date: DateTime, d: (Session, Result<()>))
    requires sv.download(p.session, url, date, b.folder) == d
    ensures Attempt(sv, b, n, p, url, date) ==
      if d.1.Ok? then Progress(d.0, p.total, p.success + 1, p.events + [Downloaded(url, date, p.total, n, b.description)])
      else Progress(d.0, p.total, p.success, p.events + [DownloadFailed(url, date, p.total, n, b.description)])
  {
  }

  /** A record that gets past the three steps is counted and downloaded. */
  lemma StepReaches(sv: Services, b: Batch, n: nat, p: Progress, data: Json)
    requires Reaches(sv.parse, b, data)
    ensures Step(sv, b, n, p, data)
         == Attempt(sv, b, n, p.(total := p.total + 1), b.urlExtractor(data).value,
                    ParseExtracted(sv.parse, b.dateStringExtractor(data)).value)
  {
  }

  /** A record that stops at one of the three steps. */
  lemma StepStops(sv: Services, b: Batch, n: nat, p: Progress, data: Json)
    ensures b.filterFn(data).Fail? ==> Step(sv, b, n, p, data) == p.(events := p.events + [FilterFailed(data)])
    ensures Declined(b, data) ==> Step(sv, b, n, p, data) == p
    ensures Selected(b, data) && b.urlExtractor(data).Fail? ==>
      Step(sv, b, n, p, data) == p.(total := p.total + 1, events := p.events + [UrlExtractorFailed(data)])
    ensures Selected(b, data) && b.urlExtractor(data).Ok? && ParseExtracted(sv.parse, b.dateStringExtractor(data)).Fail? ==>
      Step(sv, b, n, p, data) == p.(total := p.total + 1, events := p.events + [DateExtractorFailed(data)])
  {
  }

  /** The loop after the first `i` records. */
  function Run(sv: Services, s0: Session, b: Batch, list: seq<Json>, i: nat): Progress
    requires i <= |list|
  {
    if i == 0 then Progress(s0, 0, 0, [])
    else Step(sv, b, |list|, Run(sv, s0, b, list, i - 1), list[i - 1])
  }

  /** The whole call: the final state and every event, the summary last. */
  function ListSpec(sv: Services, s0: Session, b: Batch, list: seq<Json>): (Session, seq<Event>) {
    var p := Run(sv, s0, b, list, |list|);
    (p.session, p.events + [Summary(p.success, p.total, b.description)])
  }

  /** The number of records the filter accepted. */
  function CountSelected(b: Batch, records: seq<Json>): nat {
    if records == [] then 0
    else CountSelected(b, records[..|records| - 1]) + (if Selected(b, records[|records| - 1]) then 1 else 0)
  }

  /** The number of records the filter rejected without raising. */
  function CountDeclined(b: Batch, records: seq<Json>): nat {
    if records == [] then 0
    else CountDeclined(b, records[..|records| - 1]) + (if Declined(b, records[|records| - 1]) then 1 else 0)
  }

  /** The event reports a record that passed the filter. */
  predicate ReportsAccepted(e: Event) {
    e.UrlExtractorFailed? || e.DateExtractorFailed? || e.Downloaded? || e.DownloadFailed?
  }

  /** How many events report a record that passed the filter. */
  function CountAccepted(events: seq<Event>): nat {
    if events == [] then 0
    else CountAccepted(events[..|events| - 1]) + (if ReportsAccepted(events[|events| - 1]) then 1 else 0)
  }

  /** How many events report a download. */
  function CountDownloaded(events: seq<Event>): nat {
    if events == [] then 0
    else CountDownloaded(events[..|events| - 1]) + (if events[|events| - 1].Downloaded? then 1 else 0)
  }

  /** The decision table for one record. Whatever happens, the events only
      grow, by one event unless the filter declined the record. `total`
      grows by one exactly when the filter accepts; `success` grows by one
      exactly when the record reaches the download and the download
      succeeds. The state changes only through a download. */
  lemma StepTable(sv: Services, b: Batch, n: nat, p: Progress, data: Json)
    ensures var p' := Step(sv, b, n, p, data);
      && p.events <= p'.events
      && |p'.events| == |p.events| + (if Declined(b, data) then 0 else 1)
      && p'.total == p.total + (if Selected(b, data) then 1 else 0)
      && (p'.success == p.success + 1 <==>
            Reaches(sv.parse, b, data)
            && sv.download(p.session, b.urlExtractor(data).value,
                  ParseExtracted(sv.parse, b.dateStringExtractor(data)).value, b.folder).1.Ok?)
      && (p'.success == p.success || p'.success == p.success + 1)
      && (!Reaches(sv.parse, b, data) ==> p'.session == p.session)
      && (b.filterFn(data).Fail? ==> p'.events == p.events + [FilterFailed(data)])
      && (Selected(b, data) && b.urlExtractor(data).Fail? ==> p'.events == p.events + [UrlExtractorFailed(data)])
      && (Selected(b, data) && b.urlExtractor(data).Ok? && !Reaches(sv.parse, b, data) ==>
            p'.events == p.events + [DateExtractorFailed(data)])
  {
  }

  /** One record more: the prefix of `i` records is the prefix of `i - 1`
      followed by that record. This unfolds `Run` once for the proofs
      below; it states no property of its own. */
  lemma RunUnfold(sv: Services, s0: Session, b: Batch, list: seq<Json>, i: nat)
    requires 0 < i <= |list|
    ensures Run(sv, s0, b, list, i) == Step(sv, b, |list|, Run(sv, s0, b, list, i - 1), list[i - 1])
    ensures list[..i][..i - 1] == list[..i - 1] && list[..i][i - 1] == list[i - 1]
  {
  }

  lemma {:induction false} PrefixTotals(sv: Services, s0: Session, b: Batch, list: seq<Json>, i: nat)
    requires i <= |list|
    ensures var p := Run(sv, s0, b, list, i);
      && p.success <= p.total
      && p.total == CountSelected(b, list[..i])
      && CountSelected(b, list[..i]) + CountDeclined(b, list[..i]) <= i
  {
    if i > 0 {
      PrefixTotals(sv, s0, b, list, i - 1);
      RunUnfold(sv, s0, b, list, i);
      StepTable(sv, b, |list|, Run(sv, s0, b, list, i - 1), list[i - 1]);
    }
  }

  lemma {:induction false} PrefixEvents(sv: Services, s0: Session, b: Batch, list: seq<Json>, i: nat)
    requires i <= |list|
    ensures var p := Run(sv, s0, b, list, i);
      && |p.events| == i - CountDeclined(b, list[..i])
      && (forall e :: e in p.events ==> !e.Summary?)
  {
    if i > 0 {
      PrefixEvents(sv, s0, b, list, i - 1);
      PrefixTotals(sv, s0, b, list, i - 1);
      RunUnfold(sv, s0, b, list, i);
      StepTable(sv, b, |list|, Run(sv, s0, b, list, i - 1), list[i - 1]);
    }
  }

  lemma CountSnoc(events: seq<Event>, e: Event)
    ensures CountAccepted(events + [e]) == CountAccepted(events) + (if ReportsAccepted(e) then 1 else 0)
    ensures CountDownloaded(events + [e]) == CountDownloaded(events) + (if e.Downloaded? then 1 else 0)
  {
    assert (events + [e])[..|events|] == events;
  }

  /** The counters agree with the events: `total` is the number of events
      about accepted records and `success` the number of `Downloaded` events. */
  predicate Tallied(p: Progress) {
    p.total == CountAccepted(p.events) && p.success == CountDownloaded(p.events)
  }

  /** One record moves the event counts exactly as it moves the counters. */
  lemma StepTally(sv: Services, b: Batch, n: nat, p: Progress, data: Json)
    requires Tallied(p)
    ensures Tallied(Step(sv, b, n, p, data))
  {
    StepTable(sv, b, n, p, data);
    var p' := Step(sv, b, n, p, data);
    if |p'.events| > |p.events| {
      CountSnoc(p.events, p'.events[|p.events|]);
      assert p'.events == p.events + [p'.events[|p.events|]];
    }
  }

  lemma {:induction false} PrefixTally(sv: Services, s0: Session, b: Batch, list: seq<Json>, i: nat)
    requires i <= |list|
    ensures Tallied(Run(sv, s0, b, list, i))
  {
    if i > 0 {
      PrefixTally(sv, s0, b, list, i - 1);
      RunUnfold(sv, s0, b, list, i);
      StepTally(sv, b, |list|, Run(sv, s0, b, list, i - 1), list[i - 1]);
    }
  }

  /** After the whole list: `0 <= success <= total <= |list|`, `total` is the
      number of records the filter accepted without raising, and the two
      counters agree with the events: `total` is the number of events about
      accepted records and `success` the number of `Downloaded` events. */
  lemma ListCounters(sv: Services, s0: Session, b: Batch, list: seq<Json>)
    ensures var p := Run(sv, s0, b, list, |list|);
      && p.success <= p.total <= |list|
      && p.total == CountSelected(b, list)
      && p.total == CountAccepted(p.events) && p.success == CountDownloaded(p.events)
  {
    PrefixTotals(sv, s0, b, list, |list|);
    PrefixTally(sv, s0, b, list, |list|);
    assert list[..|list|] == list;
  }

  /** The output holds exactly one summary: it is the last event and reports
      the final counters. Every other record leaves at most one event, and
      only the records the filter declined leave none. */
  lemma ListShape(sv: Services, s0: Session, b: Batch, list: seq<Json>)
    ensures var p := Run(sv, s0, b, list, |list|);
      var events := ListSpec(sv, s0, b, list).1;
      && |events| == |list| - CountDeclined(b, list) + 1
      && events[|events| - 1] == Summary(p.success, p.total, b.description)
      && forall i :: 0 <= i < |events| ==> (events[i].Summary? <==> i == |events| - 1)
  {
    PrefixEvents(sv, s0, b, list, |list|);
    assert list[..|list|] == list;
    var p := Run(sv, s0, b, list, |list|);
    var events := ListSpec(sv, s0, b, list).1;
    forall i | 0 <= i < |events| - 1
      ensures !events[i].Summary?
    {
      assert events[i] == p.events[i];
      assert p.events[i] in p.events;
    }
  }

  /** An empty list yields only the summary, reporting 0 out of 0. */
  lemma EmptyList(sv: Services, s0: Session, b: Batch)
    ensures ListSpec(sv, s0, b, []) == (s0, [Summary(0, 0, b.description)])
  {
    var p := Run(sv, s0, b, [], 0);
    assert p == Progress(s0, 0, 0, []);
    assert p.events + [Summary(p.success, p.total, b.description)] == [Summary(0, 0, b.description)];
  }

  /** Every download event carries its record's position among the
      accepted ones (1 up to `total`) and the length of the list. */
  lemma {:induction false} OrdinalsInRange(sv: Services, s0: Session, b: Batch, list: seq<Json>, i: nat)
    requires i <= |list|
    ensures var p := Run(sv, s0, b, list, i);
      forall e :: e in p.events && (e.Downloaded? || e.DownloadFailed?) ==>
        1 <= e.ordinal <= p.total && e.listLength == |list|
  {
    if i > 0 {
      OrdinalsInRange(sv, s0, b, list, i - 1);
      RunUnfold(sv, s0, b, list, i);
      StepTable(sv, b, |list|, Run(sv, s0, b, list, i - 1), list[i - 1]);
    }
  }

  /** With a scoped download, the loop never opens or closes the scope, and
      keeps the cache trimmed. */
  lemma {:induction false} RunKeepsScope(sv: Services, s0: Session, b: Batch, list: seq<Json>, i: nat)
    requires Scoped(sv.download)
    requires i <= |list|
    ensures Run(sv, s0, b, list, i).session.tempdir == s0.tempdir
    ensures CacheTrimmed(s0) ==> CacheTrimmed(Run(sv, s0, b, list, i).session)
  {
    if i > 0 {
      RunKeepsScope(sv, s0, b, list, i - 1);
    }
  }

  /** Keeping the cache is transitive. */
  lemma KeptCachedTrans(s1: Session, s2: Session, s3: Session, u: string)
    requires KeptCached(s1, s2, u) && KeptCached(s2, s3, u)
    ensures KeptCached(s1, s3, u)
  {
    assert s3.fetchLog[|s1.fetchLog|..] == s2.fetchLog[|s1.fetchLog|..] + s3.fetchLog[|s2.fetchLog|..];
  }

  /** One record keeps a non-empty cache entry, with a download that keeps
      the cache. */
  lemma StepKeepsCached(sv: Services, b: Batch, n: nat, p: Progress, data: Json, u: string)
    requires KeepsCache(sv.download)
    requires Cached(p.session, u)
    ensures KeptCached(p.session, Step(sv, b, n, p, data).session, u)
  {
    StepTable(sv, b, n, p, data);
    if Reaches(sv.parse, b, data) {
      StepReaches(sv, b, n, p, data);
      var url := b.urlExtractor(data).value;
      var date := ParseExtracted(sv.parse, b.dateStringExtractor(data)).value;
      assert KeptCached(p.session, sv.download(p.session, url, date, b.folder).0, u);
    } else {
      assert p.session.fetchLog[|p.session.fetchLog|..] == [];
    }
  }

  /** With a download that keeps the cache, a URL whose entry is non-empty
      after the first `i` records keeps that entry for the rest of the list,
      and the fetcher is never asked for it again: in a list that repeats a
      URL, the fetcher runs for it only until a fetch caches a non-empty
      entry. */
  lemma {:induction false} RunKeepsCached(sv: Services, s0: Session, b: Batch, list: seq<Json>, i: nat, j: nat, u: string)
    requires KeepsCache(sv.download)
    requires i <= j <= |list|
    requires Cached(Run(sv, s0, b, list, i).session, u)
    ensures KeptCached(Run(sv, s0, b, list, i).session, Run(sv, s0, b, list, j).session, u)
  {
    var si := Run(sv, s0, b, list, i).session;
    if j == i {
      assert si.fetchLog[|si.fetchLog|..] == [];
    } else {
      RunKeepsCached(sv, s0, b, list, i, j - 1, u);
      var p := Run(sv, s0, b, list, j - 1);
      RunUnfold(sv, s0, b, list, j);
      assert Cached(p.session, u);
      StepKeepsCached(sv, b, |list|, p, list[j - 1], u);
      KeptCachedTrans(si, p.session, Run(sv, s0, b, list, j).session, u);
    }
  }

  /** A URL cached non-empty before the list is never fetched by it. */
  lemma ListKeepsCached(sv: Services, s0: Session, b: Batch, list: seq<Json>, u: string)
    requires KeepsCache(sv.download)
    requires Cached(s0, u)
    ensures var s := ListSpec(sv, s0, b, list).0;
      && u in s.downloaded && s.downloaded[u] == s0.downloaded[u]
      && s0.fetchLog <= s.fetchLog && u !in s.fetchLog[|s0.fetchLog|..]
  {
    RunKeepsCached(sv, s0, b, list, 0, |list|, u);
  }

  /** The downloader's own loop: once a record leaves a non-empty cache
      entry for a URL, no later record of the list asks the fetcher for it. */
  lemma LoopFetchesCachedOnce(env: Env, s0: Session, b: Batch, list: seq<Json>, i: nat, j: nat, u: string)
    requires i <= j <= |list|
    requires Cached(Run(Actual(env), s0, b, list, i).session, u)
    ensures var si := Run(Actual(env), s0, b, list, i).session;
      var sj := Run(Actual(env), s0, b, list, j).session;
      && u in sj.downloaded && sj.downloaded[u] == si.downloaded[u]
      && si.fetchLog <= sj.fetchLog && u !in sj.fetchLog[|si.fetchLog|..]
  {
    SingleVideoKeepsCache(env);
    RunKeepsCached(Actual(env), s0, b, list, i, j, u);
  }

  /** With a scoped download, outside a scope nothing is downloaded and
      nothing changes: every record that reaches the download reports a
      failure. */
  lemma {:induction false} OutsideScope(sv: Services, s0: Session, b: Batch, list: seq<Json>, i: nat)
    requires Scoped(sv.download)
    requires s0.tempdir.None?
    requires i <= |list|
    ensures Run(sv, s0, b, list, i).session == s0
    ensures Run(sv, s0, b, list, i).success == 0
  {
    if i > 0 {
      OutsideScope(sv, s0, b, list, i - 1);
    }
  }
}
