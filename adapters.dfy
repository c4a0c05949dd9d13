/** The three list adapters: the arguments `download_chat_videos`,
    `download_favorited_videos` and `download_liked_videos` pass to the
    batch pipeline for each kind of export list. */
module Adapters {
  import opened Values
  import opened PosixPath
  import opened Sessions
  import opened SingleDownload
  import opened Pipeline

  /** The prefix that marks a chat message as a shared video. */
  const ChatVideoPrefix: string := "https://www.tiktokv.com/"

  /** `v.startswith(prefix)`: only a string has the method. */
  function StartsWith(v: Json, prefix: string): (r: Result<bool>)
    ensures r.Ok? <==> v.JStr?
    ensures r.Ok? ==> (r.value <==> prefix <= v.s)
  {
    match v
    case JStr(s) => Ok(prefix <= s)
    case _ => Fail(AttributeError)
  }

  /** `lambda data: data["Content"].startswith("https://www.tiktokv.com/")`. */
  function ChatFilter(data: Json): Result<bool> {
    match GetItem(data, "Content")
    case Fail(e) => Fail(e)
    case Ok(content) => StartsWith(content, ChatVideoPrefix)
  }

  function ChatUrl(data: Json): Result<Json> {
    GetItem(data, "Content")
  }

  function ChatDate(data: Json): Result<Json> {
    GetItem(data, "Date")
  }

  /** The batch for the messages exchanged with one recipient. */
  function ChatBatch(recipient: string): Batch {
    Batch("videos exchanged with " + recipient, "chats/" + recipient, ChatFilter, ChatUrl, ChatDate)
  }

  function AcceptAll(data: Json): Result<bool> {
    Ok(true)
  }

  function FavoritedUrl(data: Json): Result<Json> {
    GetItem(data, "Link")
  }

  function FavoritedDate(data: Json): Result<Json> {
    GetItem(data, "Date")
  }

  function FavoritedBatch(): Batch {
    Batch("favorited videos", "favorited", AcceptAll, FavoritedUrl, FavoritedDate)
  }

  function LikedUrl(data: Json): Result<Json> {
    GetItem(data, "link")
  }

  function LikedDate(data: Json): Result<Json> {
    GetItem(data, "date")
  }

  function LikedBatch(): Batch {
    Batch("liked videos", "liked", AcceptAll, LikedUrl, LikedDate)
  }

  /** A chat message is selected exactly when it is an object whose
      "Content" is a string starting with the video prefix, and the filter
      raises exactly when "Content" is missing or is not a string. A
      selected message therefore always passes the URL step, with a string
      URL carrying that prefix. */
  lemma ChatSelection(recipient: string, data: Json)
    ensures Selected(ChatBatch(recipient), data) <==>
      && data.JObject? && "Content" in data.fields
      && data.fields["Content"].JStr? && ChatVideoPrefix <= data.fields["Content"].s
    ensures ChatBatch(recipient).filterFn(data).Fail? <==>
      !(data.JObject? && "Content" in data.fields && data.fields["Content"].JStr?)
    ensures Selected(ChatBatch(recipient), data) ==>
      && ChatBatch(recipient).urlExtractor(data).Ok?
      && ChatBatch(recipient).urlExtractor(data).value.JStr?
      && ChatVideoPrefix <= ChatBatch(recipient).urlExtractor(data).value.s
  {
  }

  /** A filter that accepts every record without raising counts every
      record. */
  lemma {:induction false} AllSelectedCount(b: Batch, records: seq<Json>)
    requires forall data :: b.filterFn(data) == Ok(true)
    ensures CountSelected(b, records) == |records|
  {
    if records != [] {
      AllSelectedCount(b, records[..|records| - 1]);
    }
  }

  /** Favorited and liked lists filter nothing out: `total` ends at the length
      of the list and the output holds one event per record plus the summary. */
  lemma EveryRecordCounted(sv: Services, s0: Session, list: seq<Json>, liked: bool)
    ensures var b := if liked then LikedBatch() else FavoritedBatch();
      && Run(sv, s0, b, list, |list|).total == |list|
      && |ListSpec(sv, s0, b, list).1| == |list| + 1
  {
    var b := if liked then LikedBatch() else FavoritedBatch();
    AllSelectedCount(b, list);
    ListCounters(sv, s0, b, list);
    ListShape(sv, s0, b, list);
    assert CountDeclined(b, list) == 0 by {
      NoneDeclined(b, list);
    }
  }

  lemma {:induction false} NoneDeclined(b: Batch, records: seq<Json>)
    requires forall data :: b.filterFn(data) == Ok(true)
    ensures CountDeclined(b, records) == 0
  {
    if records != [] {
      NoneDeclined(b, records[..|records| - 1]);
    }
  }

  lemma NoSlashSimple(f: Path)
    requires |f| > 0 && '/' !in f
    ensures SimpleRelative(f)
  {
    assert f[0] in f && f[|f| - 1] in f;
  }

  lemma ChatFolderSimple(recipient: string)
    requires |recipient| > 0 && '/' !in recipient
    ensures SimpleRelative("chats/" + recipient)
  {
    var f := "chats/" + recipient;
    forall i, j | 0 <= i < j < |f| && j == i + 1
      ensures !(f[i] == '/' && f[j] == '/')
    {
      if j >= 6 {
        assert f[j] == recipient[j - 6];
      }
    }
    assert f[|f| - 1] == recipient[|recipient| - 1];
  }

  /** A list stored under a folder name without '/' lands in
      `base/<name>`, for a base directory without a trailing '/'. */
  lemma PlainFolder(base: Path, name: Path)
    requires |base| > 0 && base[|base| - 1] != '/'
    requires |name| > 0 && '/' !in name
    ensures DestFolder(base, name) == base + "/" + name
  {
    NoSlashSimple(name);
    DestFolderSimple(base, name);
  }

  /** Where each list is stored under a base directory without a trailing
      '/': "favorited", "liked", and "chats/<recipient>" for a recipient name
      that is not empty and holds no '/'. */
  lemma FavoritedFolder(base: Path)
    requires |base| > 0 && base[|base| - 1] != '/'
    ensures DestFolder(base, FavoritedBatch().folder) == base + "/" + "favorited"
  {
    PlainFolder(base, "favorited");
  }

  lemma LikedFolder(base: Path)
    requires |base| > 0 && base[|base| - 1] != '/'
    ensures DestFolder(base, LikedBatch().folder) == base + "/" + "liked"
  {
    PlainFolder(base, "liked");
  }

  lemma ChatFolder(base: Path, recipient: string)
    requires |base| > 0 && base[|base| - 1] != '/'
    requires |recipient| > 0 && '/' !in recipient
    ensures DestFolder(base, ChatBatch(recipient).folder) == base + "/" + ("chats/" + recipient)
  {
    ChatFolderSimple(recipient);
    DestFolderSimple(base, "chats/" + recipient);
  }
}
