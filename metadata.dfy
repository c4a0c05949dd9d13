/** The metadata trimmer: a fetched metadata bag is cut down to a fixed
    allow-list of keys before it is cached and written beside the video. */
module Metadata {
  import opened Values

  /** The allow-list, in the order the source lists it. */
  const AllowedKeys: seq<string> := [
    "requested_downloads",
    "epoch",
    "artist",
    "upload_date",
    "duration",
    "fulltitle",
    "comment_count",
    "repost_count",
    "like_count",
    "view_count",
    "timestamp",
    "title",
    "description",
    "uploader_url",
    "track"
  ]

  /** The keys the downloader adds to each copy of a cached entry before it
      writes the sidecar. None of them is on the allow-list. */
  const TaskKeys: set<string> := {"url", "interaction_date", "interaction_timestamp", "file_path"}

  /** `{key: value for key, value in info.items() if key in allowed_keys}`:
      exactly the entries of `info` whose key is allowed, with their values. */
  function TrimInfo(info: Info): (r: Info)
    ensures forall k :: k in r <==> k in info && k in AllowedKeys
    ensures forall k :: k in r ==> r[k] == info[k]
  {
    map k | k in info && k in AllowedKeys :: info[k]
  }

  /** Trimming keeps at most the allowed keys, and none of the keys a task
      adds, so a cached entry never carries another task's fields. */
  lemma TrimmedKeys(info: Info)
    ensures TrimInfo(info).Keys <= set k | k in AllowedKeys
    ensures TrimInfo(info).Keys !! TaskKeys
    ensures |TrimInfo(info)| <= |AllowedKeys|
  {
    var allowed := set k | k in AllowedKeys;
    assert TrimInfo(info).Keys <= allowed;
    assert |allowed| <= |AllowedKeys| by {
      SetOfSeqSize(AllowedKeys);
    }
    SubsetSize(TrimInfo(info).Keys, allowed);
  }

  lemma {:induction false} SetOfSeqSize(s: seq<string>)
    ensures |set k | k in s| <= |s|
  {
    if s != [] {
      SetOfSeqSize(s[1..]);
      assert (set k | k in s) == (set k | k in s[1..]) + {s[0]};
    }
  }

  lemma SubsetSize(a: set<string>, b: set<string>)
    requires a <= b
    ensures |a| <= |b|
  {
    assert b == a + (b - a);
  }

  /** Trimming twice is trimming once. */
  lemma TrimIdempotent(info: Info)
    ensures TrimInfo(TrimInfo(info)) == TrimInfo(info)
  {
  }

  /** An entry survives trimming exactly when its key is allowed: trimming
      is the restriction of `info` to the allow-list, so two bags that agree
      on the allowed keys trim to the same result. */
  lemma TrimOnlyReadsAllowed(a: Info, b: Info)
    requires forall k :: k in AllowedKeys ==> (k in a <==> k in b)
    requires forall k :: k in AllowedKeys && k in a ==> a[k] == b[k]
    ensures TrimInfo(a) == TrimInfo(b)
  {
  }
}
